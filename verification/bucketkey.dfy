// The keys of rate limit buckets (api/rate/majors.go).

module BucketKey {
  import opened Optional

  const MAJOR_ROOT_PATHS: seq<string> := ["channels", "guilds"]

  /** The part before the first occurrence of a character. */
  function Cut(s: string, c: char): (r: string)
    ensures c !in r
    ensures c !in s ==> r == s
  {
    if s == "" || s[0] == c then "" else [s[0]] + Cut(s[1..], c)
  }

  function Split(s: string): (parts: seq<string>)
    ensures |parts| >= 1
  {
    if s == "" then [""]
    else
      var rest := Split(s[1..]);
      if s[0] == '/' then [""] + rest else [[s[0]] + rest[0]] + rest[1..]
  }

  function Join(parts: seq<string>): string {
    if parts == [] then ""
    else if |parts| == 1 then parts[0]
    else parts[0] + "/" + Join(parts[1..])
  }

  /** Text that can stand between slashes of a path. */
  predicate Segment(s: string) {
    '/' !in s && '?' !in s
  }

  predicate Major(s: string) {
    s in MAJOR_ROOT_PATHS
  }

  /** The first position of a parameter that is removed; a major one is kept. */
  function Start(root: string): nat {
    if Major(root) then 3 else 1
  }

  /** Every other segment from `start` on is emptied if it is an id or an emoji. */
  function Cleared(parts: seq<string>, start: nat, clears: string -> bool): seq<string> {
    seq(|parts|, i requires 0 <= i < |parts| => if Clears(parts, start, i, clears) then "" else parts[i])
  }

  predicate Clears(parts: seq<string>, start: nat, i: nat, clears: string -> bool)
    requires i < |parts|
  {
    i >= start && (i - start) % 2 == 0 && clears(parts[i])
  }

  lemma ClearedIs(parts: seq<string>, start: nat, clears: string -> bool, r: seq<string>)
    requires |r| == |parts|
    requires forall i :: 0 <= i < |parts| ==> r[i] == if Clears(parts, start, i, clears) then "" else parts[i]
    ensures r == Cleared(parts, start, clears)
  {
    hide Clears;
  }

  /** None is a panic: there is no slash before the query. */
  function Key(path: string, clears: string -> bool): Option<string> {
    var parts := Split(Cut(path, '?'))[1..];
    if parts == [] then None else Some("/" + Join(Cleared(parts, Start(parts[0]), clears)))
  }

  /** `clears` tells numbers, emojis and custom emojis. */
  method ParseBucketKey(path: string, clears: string -> bool) returns (key: Option<string>)
    ensures key == Key(path, clears)
  {
    hide Cut, Split, Join, Cleared;
    var parts := Split(Cut(path, '?'));
    parts := parts[1..];
    ghost var segments := parts;
    var skip := 0;
    for i := 0 to |MAJOR_ROOT_PATHS|
      invariant skip == 0
      invariant parts == segments
      invariant i > 0 ==> parts != [] && parts[0] !in MAJOR_ROOT_PATHS[..i]
    {
      if parts == [] {
        return None;
      }
      if MAJOR_ROOT_PATHS[i] == parts[0] {
        skip := 2;
        break;
      }
    }
    skip := skip + 1;
    assert skip == Start(segments[0]);
    ghost var start := skip;
    while skip < |parts|
      invariant start <= skip && (skip - start) % 2 == 0
      invariant |parts| == |segments|
      invariant forall i :: 0 <= i < |parts| ==>
                  parts[i] == if i < skip && Clears(segments, start, i, clears) then "" else segments[i]
    {
      if clears(parts[skip]) {
        parts := parts[skip := ""];
      }
      skip := skip + 2;
    }
    ClearedIs(segments, start, clears, parts);
    key := Some("/" + Join(parts));
  }

  // Splitting and joining are inverse.

  lemma {:induction false} JoinSplit(s: string)
    ensures Join(Split(s)) == s
  {
    if s != "" {
      JoinSplit(s[1..]);
    }
  }

  lemma {:induction false} SplitJoin(parts: seq<string>)
    requires parts != [] && forall p <- parts :: '/' !in p
    ensures Split(Join(parts)) == parts
  {
    var rest := if |parts| == 1 then "" else "/" + Join(parts[1..]);
    SplitPlain(parts[0], rest);
    assert Join(parts) == parts[0] + rest && parts[0] + "" == parts[0];
    if |parts| > 1 {
      SplitJoin(parts[1..]);
      assert rest[1..] == Join(parts[1..]);
    }
  }

  /** Text without a slash goes in front of the first part. */
  lemma {:induction false} SplitPlain(p: string, s: string)
    requires '/' !in p
    ensures Split(p + s) == [p + Split(s)[0]] + Split(s)[1..]
  {
    var rest := Split(s);
    if p == "" {
      assert p + s == s && p + rest[0] == rest[0];
    } else {
      var tail := Split(p[1..] + s);
      SplitPlain(p[1..], s);
      assert (p + s)[1..] == p[1..] + s && (p + s)[0] == p[0];
      assert [p[0]] + tail[0] == p + rest[0] && tail[1..] == rest[1..];
    }
  }

  lemma {:induction false} SplitHasNo(s: string, c: char)
    requires c == '/' || c !in s
    ensures forall p <- Split(s) :: c !in p
  {
    if s != "" {
      SplitHasNo(s[1..], c);
    }
  }

  lemma {:induction false} SlashSplits(s: string)
    ensures |Split(s)| == 1 <==> '/' !in s
  {
    if s != "" {
      SlashSplits(s[1..]);
    }
  }

  lemma {:induction false} JoinHasNo(parts: seq<string>, c: char)
    requires c != '/' && forall p <- parts :: c !in p
    ensures c !in Join(parts)
  {
    if |parts| > 1 {
      JoinHasNo(parts[1..], c);
    }
  }

  // What keys mean.

  ghost predicate Segments(parts: seq<string>) {
    parts != [] && forall p <- parts :: Segment(p)
  }

  /** The path made of some segments, and its key. */
  function Path(parts: seq<string>): string {
    "/" + Join(parts)
  }

  function KeyParts(parts: seq<string>, clears: string -> bool): seq<string>
    requires parts != []
  {
    Cleared(parts, Start(parts[0]), clears)
  }

  lemma PathParts(parts: seq<string>)
    requires Segments(parts)
    ensures Cut(Path(parts), '?') == Path(parts) && Split(Path(parts)) == [""] + parts
  {
    JoinHasNo(parts, '?');
    SplitJoin(parts);
    assert Path(parts)[1..] == Join(parts);
  }

  lemma KeyOfPath(parts: seq<string>, clears: string -> bool)
    requires Segments(parts)
    ensures Key(Path(parts), clears) == Some(Path(KeyParts(parts, clears)))
  {
    hide Cut, Split, Join, Start;
    PathParts(parts);
    assert ([""] + parts)[1..] == parts;
  }

  lemma KeyPartsAreSegments(parts: seq<string>, clears: string -> bool)
    requires Segments(parts)
    ensures Segments(KeyParts(parts, clears)) && KeyParts(parts, clears)[0] == parts[0]
  {
  }

  /** The segments at odd positions are the parameters. They are emptied if they are ids or emojis,
      all but the first one of a channel's or guild's path. */
  lemma WhatIsKept(parts: seq<string>, i: nat, clears: string -> bool)
    requires i < |parts|
    ensures |KeyParts(parts, clears)| == |parts|
    ensures KeyParts(parts, clears)[i]
            == if i % 2 == 1 && !(i == 1 && parts[0] in {"channels", "guilds"}) && clears(parts[i]) then "" else parts[i]
  {
  }

  /** Paths share a bucket exactly when their segments agree after ids and emojis are removed. */
  lemma SameKeyIff(p: seq<string>, q: seq<string>, clears: string -> bool)
    requires Segments(p) && Segments(q)
    ensures Key(Path(p), clears) == Key(Path(q), clears) <==> KeyParts(p, clears) == KeyParts(q, clears)
  {
    hide Key, Path, KeyParts;
    KeyOfPath(p, clears);
    KeyOfPath(q, clears);
    KeyPartsAreSegments(p, clears);
    KeyPartsAreSegments(q, clears);
    PathParts(KeyParts(p, clears));
    PathParts(KeyParts(q, clears));
    assert ([""] + KeyParts(p, clears))[1..] == KeyParts(p, clears);
    assert ([""] + KeyParts(q, clears))[1..] == KeyParts(q, clears);
  }

  /** Replacing an id or emoji at a parameter position by another one keeps the bucket. */
  lemma OtherParameterSameKey(p: seq<string>, i: nat, x: string, clears: string -> bool)
    requires Segments(p) && Segment(x) && clears(x)
    requires i < |p| && clears(p[i]) && i >= Start(p[0]) && (i - Start(p[0])) % 2 == 0
    ensures Key(Path(p), clears) == Key(Path(p[i := x]), clears)
  {
    assert p[i := x][0] == p[0];
    assert KeyParts(p, clears) == KeyParts(p[i := x], clears);
    SameKeyIff(p, p[i := x], clears);
  }

  /** Requests on different channels or guilds never share a bucket. */
  lemma SameKeySameMajor(p: seq<string>, q: seq<string>, clears: string -> bool)
    requires Segments(p) && Segments(q) && Major(p[0]) && |p| >= 2
    requires Key(Path(p), clears) == Key(Path(q), clears)
    ensures |q| == |p| && q[0] == p[0] && q[1] == p[1]
  {
    SameKeyIff(p, q, clears);
    assert KeyParts(p, clears)[0] == p[0] && KeyParts(q, clears)[0] == q[0];
    assert KeyParts(p, clears)[1] == p[1] && KeyParts(q, clears)[1] == q[1];
  }

  lemma FailsIff(path: string, clears: string -> bool)
    ensures Key(path, clears).None? <==> '/' !in Cut(path, '?')
  {
    SlashSplits(Cut(path, '?'));
  }

  lemma {:induction false} CutAtQuery(path: string, query: string)
    requires '?' !in path
    ensures Cut(path + "?" + query, '?') == path
  {
    if path == "" {
      assert path + "?" + query == "?" + query;
    } else {
      CutAtQuery(path[1..], query);
      assert (path + "?" + query)[1..] == path[1..] + "?" + query;
    }
  }

  lemma QueryIsIgnored(path: string, query: string, clears: string -> bool)
    requires '?' !in path
    ensures Key(path + "?" + query, clears) == Key(path, clears)
  {
    CutAtQuery(path, query);
  }

  lemma ClearedTwice(parts: seq<string>, start: nat, clears: string -> bool)
    ensures Cleared(Cleared(parts, start, clears), start, clears) == Cleared(parts, start, clears)
  {
  }

  /** A key is its own key. */
  lemma KeyIsIdempotent(path: string, clears: string -> bool)
    requires Key(path, clears).Some?
    ensures Key(Key(path, clears).value, clears) == Key(path, clears)
  {
    hide Cut, Split, Join, Cleared;
    var parts := Split(Cut(path, '?'))[1..];
    SplitHasNo(Cut(path, '?'), '/');
    SplitHasNo(Cut(path, '?'), '?');
    KeyPartsAreSegments(parts, clears);
    KeyOfPath(KeyParts(parts, clears), clears);
    ClearedTwice(parts, Start(parts[0]), clears);
  }
}
