/**
 Paths of spaces and repositories: the one-pass normaliser and the functions that take
 paths apart. Strings are sequences of characters.
 */
module Paths {

  const SEPARATOR := '/'

  // ---- the reference: split at separators, drop empty segments, join ----

  /** The segments of a string after one more character. */
  function Grow(segments: seq<string>, c: char): (r: seq<string>)
    requires |segments| > 0
    ensures |r| > 0
  {
    if c == SEPARATOR then segments + [""]
    else segments[..|segments| - 1] + [segments[|segments| - 1] + [c]]
  }

  function Split(s: string): (r: seq<string>)
    ensures |r| > 0
  {
    if s == "" then [""] else Grow(Split(s[..|s| - 1]), s[|s| - 1])
  }

  function Join(segments: seq<string>): string {
    if segments == [] then ""
    else if |segments| == 1 then segments[0]
    else Join(segments[..|segments| - 1]) + [SEPARATOR] + segments[|segments| - 1]
  }

  function NonEmpty(segments: seq<string>): seq<string> {
    if segments == [] then []
    else
      NonEmpty(segments[..|segments| - 1])
      + if segments[|segments| - 1] == "" then [] else [segments[|segments| - 1]]
  }

  /** The non-empty segments of a path. */
  function Names(path: string): seq<string> {
    NonEmpty(Split(path))
  }

  function AllNames(paths: seq<string>): seq<string> {
    if paths == [] then [] else AllNames(paths[..|paths| - 1]) + Names(paths[|paths| - 1])
  }

  function Concat(paths: seq<string>): string {
    Join(AllNames(paths))
  }

  predicate IsName(s: string) {
    s != "" && SEPARATOR !in s
  }

  ghost predicate AreNames(segments: seq<string>) {
    forall i :: 0 <= i < |segments| ==> IsName(segments[i])
  }

  lemma Assoc<T>(a: seq<T>, b: seq<T>, c: seq<T>)
    ensures a + b + c == a + (b + c)
  {
  }

  lemma JoinSnoc(names: seq<string>, name: string)
    requires names != []
    ensures Join(names + [name]) == Join(names) + [SEPARATOR] + name
  {
    assert (names + [name])[..|names|] == names;
  }

  lemma JoinGrow(front: seq<string>, last: string, c: char)
    ensures Join(front + [last + [c]]) == Join(front + [last]) + [c]
  {
    if front == [] {
      assert front + [last] == [last] && front + [last + [c]] == [last + [c]];
    } else {
      JoinSnoc(front, last);
      JoinSnoc(front, last + [c]);
      Assoc(Join(front) + [SEPARATOR], last, [c]);
    }
  }

  lemma {:induction false} SegmentsHaveNoSeparator(s: string)
    ensures forall i :: 0 <= i < |Split(s)| ==> SEPARATOR !in Split(s)[i]
  {
    if s != "" {
      SegmentsHaveNoSeparator(s[..|s| - 1]);
    }
  }

  lemma {:induction false} JoinUndoesSplit(s: string)
    ensures Join(Split(s)) == s
  {
    if s != "" {
      var q, last := s[..|s| - 1], s[|s| - 1];
      JoinUndoesSplit(q);
      var front := Split(q);
      assert s == q + [last];
      if last == SEPARATOR {
        JoinSnoc(front, "");
        assert q + [SEPARATOR] + "" == s;
      } else {
        assert front == front[..|front| - 1] + [front[|front| - 1]];
        JoinGrow(front[..|front| - 1], front[|front| - 1], last);
      }
    }
  }

  /** `Split` is the splitting at separators: no segment has one, and joining restores the string. */
  lemma SplitIsSplitting(s: string)
    ensures Join(Split(s)) == s
    ensures forall i :: 0 <= i < |Split(s)| ==> SEPARATOR !in Split(s)[i]
  {
    JoinUndoesSplit(s);
    SegmentsHaveNoSeparator(s);
  }

  lemma SplitSnoc(s: string, c: char)
    ensures Split(s + [c]) == Grow(Split(s), c)
  {
    assert (s + [c])[..|s|] == s;
  }

  lemma GrowBehind(a: seq<string>, b: seq<string>, c: char)
    requires b != []
    ensures Grow(a + b, c) == a + Grow(b, c)
  {
  }

  /** What follows a separator is split on its own. */
  lemma {:induction false} SplitBehind(ab: string, a: seq<string>, b: string)
    requires Split(ab) == a + [""]
    ensures Split(ab + b) == a + Split(b)
  {
    if b == "" {
      assert ab + b == ab;
    } else {
      var front, last := b[..|b| - 1], b[|b| - 1];
      assert Split(ab + b) == Grow(Split(ab + front), last) by {
        assert ab + b == (ab + front) + [last];
        SplitSnoc(ab + front, last);
      }
      SplitBehind(ab, a, front);
      GrowBehind(a, Split(front), last);
    }
  }

  lemma SplitAtSeparator(a: string, b: string)
    ensures Split(a + [SEPARATOR] + b) == Split(a) + Split(b)
  {
    SplitSnoc(a, SEPARATOR);
    SplitBehind(a + [SEPARATOR], Split(a), b);
  }

  lemma {:induction false} NonEmptyAppend(a: seq<string>, b: seq<string>)
    ensures NonEmpty(a + b) == NonEmpty(a) + NonEmpty(b)
  {
    if b == [] {
      assert a + b == a;
    } else {
      NonEmptyAppend(a, b[..|b| - 1]);
      assert (a + b)[..|a + b| - 1] == a + b[..|b| - 1];
    }
  }

  lemma NonEmptyOne(s: string)
    ensures NonEmpty([s]) == if s == "" then [] else [s]
  {
    assert [s][..0] == [] && NonEmpty([s][..0]) == [];
  }

  lemma {:induction false} NonEmptyOfSplit(segments: seq<string>)
    requires forall i :: 0 <= i < |segments| ==> SEPARATOR !in segments[i]
    ensures AreNames(NonEmpty(segments))
    ensures |NonEmpty(segments)| <= |segments|
    ensures |NonEmpty(segments)| == |segments| <==> NonEmpty(segments) == segments
  {
    if segments != [] {
      NonEmptyOfSplit(segments[..|segments| - 1]);
    }
  }

  lemma NamesAreNames(path: string)
    ensures AreNames(Names(path))
  {
    SplitIsSplitting(path);
    NonEmptyOfSplit(Split(path));
  }

  lemma {:induction false} AllNamesAreNames(paths: seq<string>)
    ensures AreNames(AllNames(paths))
  {
    if paths != [] {
      AllNamesAreNames(paths[..|paths| - 1]);
      NamesAreNames(paths[|paths| - 1]);
    }
  }

  lemma {:induction false} JoinAppend(a: seq<string>, b: seq<string>)
    requires a != [] && b != []
    ensures Join(a + b) == Join(a) + [SEPARATOR] + Join(b)
  {
    if |b| == 1 {
      assert (a + b)[..|a|] == a;
    } else {
      JoinAppend(a, b[..|b| - 1]);
      assert (a + b)[..|a + b| - 1] == a + b[..|b| - 1];
    }
  }

  lemma {:induction false} SplitName(s: string)
    requires SEPARATOR !in s
    ensures Split(s) == [s]
  {
    if s != "" {
      var front, last := s[..|s| - 1], s[|s| - 1];
      assert s == front + [last];
      SplitName(front);
      assert [front][..0] == [];
    }
  }

  /** Names survive joining: splitting the joined path gives them back. */
  lemma {:induction false} NamesOfJoin(names: seq<string>)
    requires AreNames(names)
    ensures Names(Join(names)) == names
    ensures names != [] ==> Split(Join(names)) == names
  {
    if |names| == 1 {
      SplitName(names[0]);
    } else if names != [] {
      var front, last := names[..|names| - 1], names[|names| - 1];
      assert AreNames(front) && IsName(last) && names == front + [last];
      NamesOfJoin(front);
      SplitName(last);
      SplitAtSeparator(Join(front), last);
      assert Split(Join(names)) == names;
      NonEmptyOfNames(names);
    }
  }

  lemma {:induction false} AllNamesAppend(a: seq<string>, b: seq<string>)
    ensures AllNames(a + b) == AllNames(a) + AllNames(b)
  {
    if b == [] {
      assert a + b == a;
    } else {
      var front, last := b[..|b| - 1], b[|b| - 1];
      AllNamesAppend(a, front);
      assert (a + b)[..|a + b| - 1] == a + front && (a + b)[|a + b| - 1] == last;
      Assoc(AllNames(a), AllNames(front), Names(last));
    }
  }

  // ---- what concatenation promises ----

  /** No leading, trailing or doubled separator. */
  predicate Clean(path: string) {
    path == "" ||
    (path[0] != '/' && path[|path| - 1] != '/'
     && forall i :: 0 < i < |path| ==> !(path[i - 1] == '/' && path[i] == '/'))
  }

  lemma {:induction false} JoinIsClean(names: seq<string>)
    requires AreNames(names)
    ensures Clean(Join(names)) && (Join(names) == "" <==> names == [])
  {
    if |names| == 1 {
      assert IsName(names[0]);
    } else if names != [] {
      var front, last := names[..|names| - 1], names[|names| - 1];
      JoinIsClean(front);
      assert IsName(last);
    }
  }

  lemma ConcatIsClean(paths: seq<string>)
    ensures Clean(Concat(paths))
  {
    AllNamesAreNames(paths);
    JoinIsClean(AllNames(paths));
  }

  /** Concatenating concatenations is concatenating everything: associativity and idempotence in one. */
  lemma ConcatNests(a: seq<string>, b: seq<string>)
    ensures Concat([Concat(a), Concat(b)]) == Concat(a + b)
    ensures Concat([Concat(a)]) == Concat(a)
    ensures Names(Concat(a)) == AllNames(a)
  {
    AllNamesAreNames(a);
    AllNamesAreNames(b);
    NamesOfJoin(AllNames(a));
    NamesOfJoin(AllNames(b));
    AllNamesAppend(a, b);
    AllNamesOne(Concat(a));
    AllNamesTwo(Concat(a), Concat(b));
  }

  lemma ConcatAssociates(a: string, b: string, c: string)
    ensures Concat([Concat([a, b]), c]) == Concat([a, Concat([b, c])]) == Concat([a, b, c])
  {
    ConcatNests([a, b], []);
    ConcatNests([b, c], []);
    AllNamesTwo(a, b);
    AllNamesTwo(b, c);
    AllNamesTwo(Concat([a, b]), c);
    AllNamesTwo(a, Concat([b, c]));
    Assoc(Names(a), Names(b), Names(c));
    assert [a, b, c][..2] == [a, b];
  }

  lemma AllNamesOne(p: string)
    ensures AllNames([p]) == Names(p)
  {
    assert [p][..0] == [];
    assert AllNames([p][..0]) == [];
  }

  lemma AllNamesTwo(p: string, q: string)
    ensures AllNames([p, q]) == Names(p) + Names(q)
  {
    AllNamesOne(p);
    assert [p, q][..1] == [p];
  }

  /** A clean path is a fixed point. */
  lemma {:induction false} CleanSplitsIntoNames(path: string)
    requires Clean(path) && path != ""
    ensures AreNames(Split(path)) && Concat([path]) == path
  {
    SplitIsSplitting(path);
    var segments := Split(path);
    CleanHasNoEmptySegment(path);
    NonEmptyOfNames(segments);
    AllNamesOne(path);
  }

  lemma {:induction false} NonEmptyOfNames(segments: seq<string>)
    requires forall i :: 0 <= i < |segments| ==> segments[i] != ""
    ensures NonEmpty(segments) == segments
  {
    if segments != [] {
      var n := |segments| - 1;
      NonEmptyOfNames(segments[..n]);
      assert segments == segments[..n] + [segments[n]];
    }
  }

  /** Inside a path without leading or doubled separators, only a trailing one makes an empty segment. */
  lemma {:induction false} SplitWithoutDoubles(path: string)
    requires path != "" && path[0] != SEPARATOR
    requires forall i :: 0 < i < |path| ==> !(path[i - 1] == SEPARATOR && path[i] == SEPARATOR)
    ensures
      var r := Split(path);
      && (forall i :: 0 <= i < |r| - 1 ==> r[i] != "")
      && (r[|r| - 1] == "" <==> path[|path| - 1] == SEPARATOR)
  {
    if |path| == 1 {
      assert path[..0] == "";
      assert Split(path[..0]) == [""];
    } else {
      SplitWithoutDoubles(path[..|path| - 1]);
    }
  }

  lemma CleanHasNoEmptySegment(path: string)
    requires Clean(path) && path != ""
    ensures forall i :: 0 <= i < |Split(path)| ==> Split(path)[i] != ""
  {
    SplitWithoutDoubles(path);
  }

  // ---- the one-pass normaliser ----

  datatype Rune = None | Some(value: char)

  lemma NamesExtend(q: string, c: char)
    ensures c == SEPARATOR ==> Names(q + [c]) == Names(q)
    ensures c != SEPARATOR && (q == "" || q[|q| - 1] == SEPARATOR) ==> Names(q + [c]) == Names(q) + [[c]]
    ensures c != SEPARATOR && q != "" && q[|q| - 1] != SEPARATOR ==>
      && Names(q) != []
      && Names(q + [c]) == Names(q)[..|Names(q)| - 1] + [Names(q)[|Names(q)| - 1] + [c]]
  {
    var s := q + [c];
    assert s[..|s| - 1] == q;
    var front := Split(q);
    var init, last := front[..|front| - 1], front[|front| - 1];
    assert front == init + [last];
    NonEmptyAppend(init, [last]);
    NonEmptyOne(last);
    LastSegment(q);
    if c == SEPARATOR {
      NonEmptyAppend(front, [""]);
      NonEmptyOne("");
    } else {
      NonEmptyAppend(init, [last + [c]]);
      NonEmptyOne(last + [c]);
      assert last == "" ==> last + [c] == [c];
    }
  }

  lemma LastSegment(q: string)
    ensures (q == "" || q[|q| - 1] == SEPARATOR) <==> Split(q)[|Split(q)| - 1] == ""
  {
  }

  /** Appending a name to a path: with a separator unless the path is empty. */
  function Glue(path: string, names: seq<string>): string {
    if names == [] then path else (if path == "" then "" else path + [SEPARATOR]) + Join(names)
  }

  lemma GlueSnoc(prefix: string, names: seq<string>, c: char)
    requires names != []
    ensures Glue(prefix, names + [[c]]) == Glue(prefix, names) + [SEPARATOR] + [c]
  {
    JoinSnoc(names, [c]);
  }

  lemma GlueGrow(prefix: string, names: seq<string>, c: char)
    requires names != []
    ensures
      Glue(prefix, names[..|names| - 1] + [names[|names| - 1] + [c]]) == Glue(prefix, names) + [c]
  {
    JoinGrow(names[..|names| - 1], names[|names| - 1], c);
    assert names == names[..|names| - 1] + [names[|names| - 1]];
  }

  /** What one more rune does to a path in the making. */
  lemma GlueExtends(prefix: string, q: string, c: char)
    ensures
      var before, after := Glue(prefix, Names(q)), Glue(prefix, Names(q + [c]));
      if c == SEPARATOR then after == before
      else if Names(q) == [] then after == (if prefix == "" then "" else prefix + [SEPARATOR]) + [c]
      else if q[|q| - 1] == SEPARATOR then after == before + [SEPARATOR] + [c]
      else after == before + [c]
    ensures c != SEPARATOR ==> Names(q + [c]) != []
    ensures c == SEPARATOR ==> Names(q + [c]) == Names(q)
    ensures Names(q) == [] ==> q == "" || q[|q| - 1] == SEPARATOR
  {
    NamesExtend(q, c);
    var names := Names(q);
    if names != [] {
      GlueSnoc(prefix, names, c);
      GlueGrow(prefix, names, c);
    } else if q != "" {
      NamesExtend(q[..|q| - 1], q[|q| - 1]);
      assert q == q[..|q| - 1] + [q[|q| - 1]];
    }
  }

  lemma GlueJoins(a: seq<string>, b: seq<string>)
    requires AreNames(a)
    ensures Glue(Join(a), b) == Join(a + b)
  {
    JoinIsClean(a);
    if b == [] {
      assert a + b == a;
    } else if a == [] {
      assert a + b == b;
    } else {
      JoinAppend(a, b);
    }
  }

  method Concatenate(paths: seq<string>) returns (r: string)
    ensures r == Concat(paths)
  {
    if |paths| == 0 {
      return "";
    }
    var sb := "";
    for i := 0 to |paths|
      invariant sb == Concat(paths[..i])
    {
      sb := AppendPath(sb, paths[i]);
      assert paths[..i + 1][..i] == paths[..i];
      AllNamesAreNames(paths[..i]);
      GlueJoins(AllNames(paths[..i]), Names(paths[i]));
    }
    assert paths[..|paths|] == paths;
    return sb;
  }

  /** The string builder and the rune that is held back, while one path is appended. */
  datatype Builder = Builder(sb: string, nextRune: Rune)

  function Feed(b: Builder, c: char): Builder {
    if (b.nextRune.None? || b.nextRune.value == SEPARATOR) && c == SEPARATOR then b
    else if b.nextRune.Some? then Builder(b.sb + [b.nextRune.value], Some(c))
    else Builder(if b.sb == "" then "" else b.sb + [SEPARATOR], Some(c))
  }

  function Fed(prefix: string, q: string): Builder {
    if q == "" then Builder(prefix, None) else Feed(Fed(prefix, q[..|q| - 1]), q[|q| - 1])
  }

  /** The builder with the rune that is held back, unless that is a separator. */
  function Flush(b: Builder): string {
    if b.nextRune.Some? && b.nextRune.value != SEPARATOR then b.sb + [b.nextRune.value] else b.sb
  }

  /** The builder after the runes in `q`: it lacks only the rune held back. */
  ghost predicate Built(prefix: string, q: string, b: Builder) {
    && Flush(b) == Glue(prefix, Names(q))
    && match b.nextRune
       case None => Names(q) == [] && b.sb == prefix && (q != "" ==> q[|q| - 1] == SEPARATOR)
       case Some(r) => q != "" && Names(q) != [] && r == q[|q| - 1]
  }

  lemma FeedKeepsBuilt(prefix: string, q: string, b: Builder, c: char)
    requires Built(prefix, q, b)
    ensures Built(prefix, q + [c], Feed(b, c))
  {
    GlueExtends(prefix, q, c);
  }

  /** The one-pass machine builds what splitting, filtering and joining gives. */
  lemma {:induction false} FedIsBuilt(prefix: string, q: string)
    ensures Built(prefix, q, Fed(prefix, q))
  {
    if q == "" {
      NonEmptyOne("");
    } else {
      var n := |q| - 1;
      FedIsBuilt(prefix, q[..n]);
      FeedKeepsBuilt(prefix, q[..n], Fed(prefix, q[..n]), q[n]);
      assert q == q[..n] + [q[n]];
    }
  }

  /** The inner loop: one path, rune by rune, holding back the last rune. */
  method AppendPath(prefix: string, path: string) returns (sb: string)
    ensures sb == Glue(prefix, Names(path))
  {
    sb := prefix;
    var nextRune := None;
    for j := 0 to |path|
      invariant Builder(sb, nextRune) == Fed(prefix, path[..j])
    {
      var c := path[j];
      assert path[..j + 1][..j] == path[..j];
      if (nextRune.None? || nextRune.value == SEPARATOR) && c == SEPARATOR {
        continue;
      }
      if nextRune.None? && |sb| > 0 {
        sb := sb + [SEPARATOR];
      }
      if nextRune.Some? {
        sb := sb + [nextRune.value];
      }
      nextRune := Some(c);
    }
    assert path[..|path|] == path;
    if nextRune.Some? && nextRune.value != SEPARATOR {
      sb := sb + [nextRune.value];
    }
    FedIsBuilt(prefix, path);
  }

  // ---- taking paths apart ----

  function TrimLeft(s: string): string {
    if s != "" && s[0] == SEPARATOR then TrimLeft(s[1..]) else s
  }

  function TrimRight(s: string): string {
    if s != "" && s[|s| - 1] == SEPARATOR then TrimRight(s[..|s| - 1]) else s
  }

  function Trim(s: string): string {
    TrimRight(TrimLeft(s))
  }

  /** Position of the last separator, or -1. */
  function LastIndex(s: string): (i: int)
    ensures -1 <= i < |s|
    ensures i >= 0 ==> s[i] == SEPARATOR
    ensures forall k :: i < k < |s| ==> s[k] != SEPARATOR
  {
    if s == "" then -1
    else if s[|s| - 1] == SEPARATOR then |s| - 1
    else LastIndex(s[..|s| - 1])
  }

  /** Position of the first separator, or -1. */
  function Index(s: string): (i: int)
    ensures -1 <= i < |s|
    ensures i >= 0 ==> s[i] == SEPARATOR
    ensures forall k :: 0 <= k < (if i < 0 then |s| else i) ==> s[k] != SEPARATOR
  {
    if s == "" then -1
    else if s[0] == SEPARATOR then 0
    else
      var i := Index(s[1..]);
      if i < 0 then -1 else i + 1
  }

  function Occurrences(s: string): nat {
    if s == "" then 0 else Occurrences(s[..|s| - 1]) + if s[|s| - 1] == SEPARATOR then 1 else 0
  }

  datatype Parts = PathEmpty | Parts(first: string, second: string)

  function DisectLeaf(path: string): Parts {
    var p := Trim(path);
    if p == "" then PathEmpty
    else
      var i := LastIndex(p);
      if i == -1 then Parts("", p) else Parts(p[..i], p[i + 1..])
  }

  function DisectRoot(path: string): Parts {
    var p := Trim(path);
    if p == "" then PathEmpty
    else
      var i := Index(p);
      if i == -1 then Parts(p, "") else Parts(p[..i], p[i + 1..])
  }

  function Segments(path: string): seq<string> {
    Split(Trim(path))
  }

  function Depth(path: string): nat {
    var p := Trim(path);
    if |p| == 0 then 0 else Occurrences(p) + 1
  }

  lemma {:induction false} TrimLeftKeepsNames(s: string)
    ensures Names(TrimLeft(s)) == Names(s)
    ensures TrimLeft(s) != "" ==> TrimLeft(s)[0] != SEPARATOR
  {
    if s != "" && s[0] == SEPARATOR {
      TrimLeftKeepsNames(s[1..]);
      SplitAtSeparator("", s[1..]);
      assert s == "" + [SEPARATOR] + s[1..];
      NonEmptyAppend([""], Split(s[1..]));
    }
  }

  lemma {:induction false} TrimRightKeepsNames(s: string)
    ensures Names(TrimRight(s)) == Names(s)
    ensures TrimRight(s) != "" ==> TrimRight(s)[|TrimRight(s)| - 1] != SEPARATOR && TrimRight(s)[0] == s[0]
  {
    if s != "" && s[|s| - 1] == SEPARATOR {
      TrimRightKeepsNames(s[..|s| - 1]);
      NamesExtend(s[..|s| - 1], SEPARATOR);
      assert s == s[..|s| - 1] + [SEPARATOR];
    }
  }

  /** A path that does not end with a separator has a name. */
  lemma TrimmedHasName(p: string)
    requires p != "" && p[|p| - 1] != SEPARATOR
    ensures Names(p) != []
  {
    var n := |p| - 1;
    NamesExtend(p[..n], p[n]);
    assert p == p[..n] + [p[n]];
  }

  lemma TrimEnds(path: string)
    ensures Trim(path) != "" ==> Trim(path)[0] != SEPARATOR && Trim(path)[|Trim(path)| - 1] != SEPARATOR
  {
    TrimLeftKeepsNames(path);
    TrimRightKeepsNames(TrimLeft(path));
  }

  /** Trimming removes no name, and leaves nothing exactly when there is none. */
  lemma TrimKeepsNames(path: string)
    ensures Names(Trim(path)) == Names(path)
    ensures Trim(path) == "" <==> Names(path) == []
    ensures Trim(path) != "" ==> Trim(path)[0] != SEPARATOR && Trim(path)[|Trim(path)| - 1] != SEPARATOR
  {
    TrimLeftKeepsNames(path);
    TrimRightKeepsNames(TrimLeft(path));
    TrimEnds(path);
    if Trim(path) != "" {
      TrimmedHasName(Trim(path));
    } else {
      NonEmptyOne("");
    }
  }

  /** A separator splits a path into the names before and behind it. */
  lemma NamesAtSeparator(a: string, b: string)
    ensures Names(a + [SEPARATOR] + b) == Names(a) + Names(b)
  {
    SplitAtSeparator(a, b);
    NonEmptyAppend(Split(a), Split(b));
  }

  lemma NamesOfName(name: string)
    requires IsName(name)
    ensures Names(name) == [name]
  {
    SplitName(name);
    NonEmptyOne(name);
  }

  lemma ConcatOfParts(path: string, a: string, b: string)
    requires Names(path) == Names(a) + Names(b)
    ensures Concat([a, b]) == Concat([path])
  {
    AllNamesOne(path);
    AllNamesTwo(a, b);
  }

  lemma LeafIsName(p: string)
    requires p != "" && p[|p| - 1] != SEPARATOR
    ensures IsName(p[LastIndex(p) + 1..])
  {
    var i := LastIndex(p) + 1;
    assert forall k :: 0 <= k < |p[i..]| ==> p[i..][k] == p[i + k];
  }

  lemma LeafIsLastName(p: string)
    requires p != "" && p[|p| - 1] != SEPARATOR
    ensures
      var i := LastIndex(p);
      var parent, leaf := if i == -1 then "" else p[..i], if i == -1 then p else p[i + 1..];
      IsName(leaf) && Names(leaf) == [leaf] && Names(p) == Names(parent) + Names(leaf)
  {
    var i := LastIndex(p);
    LeafIsName(p);
    if i == -1 {
      assert p[i + 1..] == p;
      NamesOfName(p);
      NonEmptyOne("");
    } else {
      NamesOfName(p[i + 1..]);
      NamesAtSeparator(p[..i], p[i + 1..]);
      assert p == p[..i] + [SEPARATOR] + p[i + 1..];
    }
  }

  lemma RootIsFirstName(p: string)
    requires p != "" && p[0] != SEPARATOR && p[|p| - 1] != SEPARATOR
    ensures
      var i := Index(p);
      var root, rest := if i == -1 then p else p[..i], if i == -1 then "" else p[i + 1..];
      IsName(root) && Names(root) == [root] && Names(p) == Names(root) + Names(rest)
  {
    var i := Index(p);
    if i == -1 {
      NamesOfName(p);
      NonEmptyOne("");
      assert [p] + [] == [p];
    } else {
      NamesOfName(p[..i]);
      NamesAtSeparator(p[..i], p[i + 1..]);
      assert p == p[..i] + [SEPARATOR] + p[i + 1..];
    }
  }

  /**
   For every path: splitting off the leaf fails exactly when the path has no names; the
   leaf is the last name, the parent has the others, and concatenation undoes the split.
   */
  lemma DisectLeafSplitsOffLastName(path: string)
    ensures
      match DisectLeaf(path)
      case PathEmpty => Names(path) == []
      case Parts(parent, leaf) =>
        && Names(path) == Names(parent) + [leaf] && IsName(leaf)
        && Concat([parent, leaf]) == Concat([path])
  {
    TrimKeepsNames(path);
    if Trim(path) != "" {
      LeafIsLastName(Trim(path));
      ConcatOfParts(path, DisectLeaf(path).first, DisectLeaf(path).second);
    }
  }

  /** The same for the root: it is the first name, and the rest has the others. */
  lemma DisectRootSplitsOffFirstName(path: string)
    ensures
      match DisectRoot(path)
      case PathEmpty => Names(path) == []
      case Parts(root, rest) =>
        && Names(path) == [root] + Names(rest) && IsName(root)
        && Concat([root, rest]) == Concat([path])
  {
    TrimKeepsNames(path);
    if Trim(path) != "" {
      RootIsFirstName(Trim(path));
      ConcatOfParts(path, DisectRoot(path).first, DisectRoot(path).second);
    }
  }

  lemma {:induction false} OccurrencesCountSegments(s: string)
    ensures |Split(s)| == Occurrences(s) + 1
  {
    if s != "" {
      OccurrencesCountSegments(s[..|s| - 1]);
    }
  }

  /**
   The depth is the number of segments, except that the empty path has depth 0 and one
   segment. It is the number of names exactly when the trimmed path is normalised.
   */
  lemma DepthCountsNamesIff(path: string)
    ensures Trim(path) != "" ==> Depth(path) == |Segments(path)|
    ensures Trim(path) == "" ==> Depth(path) == 0 && Segments(path) == [""]
    ensures Depth(path) == |Names(path)| <==> Trim(path) == Concat([path])
  {
    var p := Trim(path);
    TrimKeepsNames(path);
    OccurrencesCountSegments(p);
    AllNamesOne(path);
    SplitIsSplitting(p);
    NonEmptyOfSplit(Split(p));
    NamesAreNames(path);
    NamesOfJoin(Names(path));
    JoinIsClean(Names(path));
  }
}
