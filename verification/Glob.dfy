/**
 The extension-name matcher: a greedy, leftmost search for the segments between the
 `*`s, proved to decide the declarative glob language.
 */
module Glob {
  import opened Prelude
  import opened AsciiText

  // ---- The language --------------------------------------------------------

  // `*` stands for any run of characters, possibly empty; all else for itself.
  ghost predicate InLanguage(p: string, s: string)
    decreases |p|
  {
    if p == "" then s == ""
    else if p[0] == '*' then exists k :: 0 <= k <= |s| && InLanguage(p[1..], s[k..])
    else s != "" && s[0] == p[0] && InLanguage(p[1..], s[1..])
  }

  // ---- String operations of the source -------------------------------------

  // split('*')
  function Split(p: string): (r: seq<string>)
    ensures |r| >= 1
  {
    if p == "" then [""]
    else
      var rest := Split(p[1..]);
      if p[0] == '*' then [""] + rest else [[p[0]] + rest[0]] + rest[1..]
  }

  predicate StartsWith(s: string, t: string) {
    t <= s
  }

  predicate EndsWith(s: string, t: string) {
    |t| <= |s| && s[|s| - |t|..] == t
  }

  predicate OccursAt(s: string, t: string, k: int) {
    0 <= k <= |s| && StartsWith(s[k..], t)
  }

  // find: the leftmost occurrence.
  function Find(s: string, t: string): (r: Option<nat>)
    ensures r.Some? ==> OccursAt(s, t, r.value) && forall k :: 0 <= k < r.value ==> !OccursAt(s, t, k)
    ensures r.None? ==> forall k :: 0 <= k <= |s| ==> !OccursAt(s, t, k)
  {
    if StartsWith(s, t) then
      assert s[0..] == s;
      Some(0)
    else if s == "" then None
    else
      var r := Find(s[1..], t);
      LaterOccurrences(s, t);
      if r.Some? then Some(r.value + 1) else None
  }

  lemma LaterOccurrences(s: string, t: string)
    requires s != ""
    ensures OccursAt(s, t, 0) <==> StartsWith(s, t)
    ensures forall k :: 1 <= k <= |s| ==> (OccursAt(s, t, k) <==> OccursAt(s[1..], t, k - 1))
  {
    assert s[0..] == s;
    forall k | 1 <= k <= |s|
      ensures OccursAt(s, t, k) <==> OccursAt(s[1..], t, k - 1)
    {
      assert s[1..][k - 1..] == s[k..];
    }
  }

  // ---- The language by segments --------------------------------------------

  // Any run, the first segment, any run, the second segment, and so on to the end.
  ghost predicate Gapped(segs: seq<string>, s: string)
    decreases |segs|
  {
    if segs == [] then s == ""
    else exists k :: OccursAt(s, segs[0], k) && Gapped(segs[1..], s[k + |segs[0]|..])
  }

  // The same, with the first segment at `k`.
  ghost predicate GappedAt(segs: seq<string>, s: string, k: int)
    requires segs != []
  {
    OccursAt(s, segs[0], k) && Gapped(segs[1..], s[k + |segs[0]|..])
  }

  lemma {:induction false} GappedSomewhere(segs: seq<string>, s: string)
    requires segs != []
    ensures Gapped(segs, s) <==> exists k :: GappedAt(segs, s, k)
  {
    if Gapped(segs, s) {
      var k :| OccursAt(s, segs[0], k) && Gapped(segs[1..], s[k + |segs[0]|..]);
      assert GappedAt(segs, s, k);
    }
  }

  ghost predicate Segmented(segs: seq<string>, s: string)
    requires |segs| >= 1
  {
    StartsWith(s, segs[0]) && Gapped(segs[1..], s[|segs[0]|..])
  }

  lemma {:induction false} GappedIsSegmentedLater(segs: seq<string>, s: string)
    requires |segs| >= 1
    ensures Gapped(segs, s) <==> exists k :: 0 <= k <= |s| && Segmented(segs, s[k..])
  {
    GappedSomewhere(segs, s);
    forall k | 0 <= k <= |s| ensures GappedAt(segs, s, k) <==> Segmented(segs, s[k..]) {
      if OccursAt(s, segs[0], k) {
        assert s[k..][|segs[0]|..] == s[k + |segs[0]|..];
      }
    }
  }

  lemma {:induction false} NoStarMatch(segs: seq<string>, s: string)
    requires |segs| == 1
    ensures Segmented(segs, s) <==> s == segs[0]
  {
    if StartsWith(s, segs[0]) && s[|segs[0]|..] == "" {
      assert s == segs[0];
    }
  }

  lemma {:induction false} SegmentedChar(c: char, segs: seq<string>, s: string)
    requires |segs| >= 1
    ensures Segmented([[c] + segs[0]] + segs[1..], s) <==> s != "" && s[0] == c && Segmented(segs, s[1..])
  {
    hide Gapped;
    var all := [[c] + segs[0]] + segs[1..];
    assert all[1..] == segs[1..];
    if s != "" {
      assert s == [s[0]] + s[1..];
      assert StartsWith(s, [c] + segs[0]) <==> s[0] == c && StartsWith(s[1..], segs[0]);
      if StartsWith(s[1..], segs[0]) {
        assert s[1..][|segs[0]|..] == s[1 + |segs[0]|..];
      }
    }
  }

  lemma {:induction false} LanguageIsSegmented(p: string, s: string)
    ensures InLanguage(p, s) <==> Segmented(Split(p), s)
    decreases |p|
  {
    hide Gapped;
    if p == "" {
      NoStarMatch(Split(p), s);
    } else if p[0] == '*' {
      assert s[0..] == s && Split(p)[1..] == Split(p[1..]);
      GappedIsSegmentedLater(Split(p[1..]), s);
      forall k | 0 <= k <= |s| ensures InLanguage(p[1..], s[k..]) <==> Segmented(Split(p[1..]), s[k..]) {
        LanguageIsSegmented(p[1..], s[k..]);
      }
    } else {
      SegmentedChar(p[0], Split(p[1..]), s);
      if s != "" {
        LanguageIsSegmented(p[1..], s[1..]);
      }
    }
  }

  // A tail that begins with a run may just as well begin earlier.
  lemma {:induction false} GappedEarlier(segs: seq<string>, s: string, i: nat, j: nat)
    requires segs != [] && i <= j <= |s| && Gapped(segs, s[j..])
    ensures Gapped(segs, s[i..])
  {
    GappedSomewhere(segs, s[j..]);
    GappedSomewhere(segs, s[i..]);
    var k :| GappedAt(segs, s[j..], k);
    var k' := k + j - i;
    assert s[i..][k'..] == s[j..][k..];
    assert s[i..][k' + |segs[0]|..] == s[j..][k + |segs[0]|..];
    assert GappedAt(segs, s[i..], k');
  }

  // So the leftmost occurrence of a segment that is not the last is the best one.
  lemma {:induction false} LeftmostIsBest(segs: seq<string>, s: string)
    requires |segs| >= 2
    ensures var f := Find(s, segs[0]);
            Gapped(segs, s) <==> f.Some? && GappedAt(segs, s, f.value)
  {
    hide Gapped, Find;
    var f := Find(s, segs[0]);
    GappedSomewhere(segs, s);
    if Gapped(segs, s) {
      var k :| GappedAt(segs, s, k);
      GappedEarlier(segs[1..], s, f.value + |segs[0]|, k + |segs[0]|);
    }
  }

  // The last segment must end the string, without overlapping what came before.
  lemma {:induction false} LastSegment(segs: seq<string>, s: string)
    requires |segs| == 1
    ensures Gapped(segs, s) <==> EndsWith(s, segs[0])
    ensures EndsWith(s, segs[0]) ==> Find(s, segs[0]).Some?
  {
    var t := segs[0];
    GappedSomewhere(segs, s);
    if EndsWith(s, t) {
      var k := |s| - |t|;
      assert OccursAt(s, t, k) && s[k + |t|..] == "";
      assert GappedAt(segs, s, k);
    }
    if Gapped(segs, s) {
      var k :| GappedAt(segs, s, k);
      assert k + |t| == |s| && s[k..] == t;
    }
  }

  // One unfolding of `Split`.
  lemma SplitFirst(p: string)
    requires p != ""
    ensures var rest := Split(p[1..]);
            Split(p) == if p[0] == '*' then [""] + rest else [[p[0]] + rest[0]] + rest[1..]
  {
  }

  lemma SplitEmpty()
    ensures Split("") == [""]
  {
  }

  lemma LowerCons(c: char, s: string)
    ensures Lower([c] + s) == [LowerChar(c)] + Lower(s)
  {
    assert ([c] + s)[1..] == s;
  }

  lemma {:induction false} SplitLower(p: string)
    ensures |Split(Lower(p))| == |Split(p)|
    ensures forall i :: 0 <= i < |Split(p)| ==> Split(Lower(p))[i] == Lower(Split(p)[i])
  {
    hide Split, Lower;
    if p == "" {
      SplitEmpty();
    } else {
      var c := p[0];
      assert p == [c] + p[1..];
      LowerCons(c, p[1..]);
      SplitFirst(p);
      SplitFirst(Lower(p));
      SplitLower(p[1..]);
      LowerCons(c, Split(p[1..])[0]);
      assert Lower(p)[1..] == Lower(p[1..]);
    }
  }

  // A pattern that ends in `*` has an empty last segment.
  lemma {:induction false} TrailingStar(p: string)
    requires p != "" && p[|p| - 1] == '*'
    ensures Split(p)[|Split(p)| - 1] == "" && |Split(p)| >= 2
  {
    hide Split;
    SplitFirst(p);
    if |p| > 1 {
      TrailingStar(p[1..]);
    } else {
      assert p[1..] == "" && p[0] == '*';
      SplitEmpty();
    }
  }

  lemma {:induction false} NoStar(p: string)
    requires |Split(p)| == 1
    ensures Split(p) == [p]
  {
    hide Split;
    if p == "" {
      SplitEmpty();
    } else {
      SplitFirst(p);
      NoStar(p[1..]);
      assert [p[0]] + p[1..] == p;
    }
  }

  // ---- The matcher ---------------------------------------------------------

  method ExtensionNameMatches(pattern: string, rawName: string) returns (matches: bool)
    ensures matches <==> InLanguage(Lower(pattern), Lower(rawName))
  {
    hide Gapped, Find, Split, Lower, InLanguage;
    var name := Lower(rawName);
    var segments := Split(pattern);
    ghost var segs := Split(Lower(pattern));
    SplitLower(pattern);
    LanguageIsSegmented(Lower(pattern), name);
    if |segments| == 1 {
      NoStar(Lower(pattern));
      NoStarMatch(segs, name);
      return name == Lower(pattern);
    }
    var lowered := seq(|segments|, i requires 0 <= i < |segments| => Lower(segments[i]));
    assert lowered == segs;
    var cursor := 0;
    ghost var last := segs[|segs| - 1];
    for index := 0 to |lowered|
      invariant 0 <= cursor <= |name|
      invariant index == 0 ==> cursor == 0
      invariant 0 < index < |segs| ==> (Segmented(segs, name) <==> Gapped(segs[index..], name[cursor..]))
      invariant index == |segs| ==> (Segmented(segs, name) <==> last == "" || EndsWith(name, last))
    {
      var segment := lowered[index];
      assert name[0..] == name;
      if segment == "" {
        EmptySegment(segs, index, name, cursor);
        continue;
      }
      if index == 0 {
        if !StartsWith(name[cursor..], segment) {
          return false;
        }
        cursor := cursor + |segment|;
        continue;
      }
      var found := Find(name[cursor..], segment);
      SegmentStep(segs, index, name, cursor);
      match found {
        case Some(k) => cursor := cursor + k + |segment|;
        case None => return false;
      }
    }
    if pattern != "" && pattern[|pattern| - 1] == '*' {
      TrailingStar(pattern);
      return true;
    }
    return lowered[|lowered| - 1] == "" || EndsWith(name, lowered[|lowered| - 1]);
  }

  // An empty segment demands nothing.
  lemma {:induction false} EmptySegment(segs: seq<string>, index: nat, name: string, cursor: nat)
    requires |segs| >= 2 && index < |segs| && segs[index] == "" && cursor <= |name|
    ensures index == 0 ==> (Segmented(segs, name) <==> Gapped(segs[1..], name[0..]))
    ensures 0 < index < |segs| - 1 ==>
              (Gapped(segs[index..], name[cursor..]) <==> Gapped(segs[index + 1..], name[cursor..]))
    ensures index == |segs| - 1 ==> Gapped(segs[index..], name[cursor..])
  {
    var t := name[cursor..];
    if index == |segs| - 1 {
      LastSegment(segs[index..], t);
    } else if index > 0 {
      assert segs[index..][1..] == segs[index + 1..];
      LeftmostIsBest(segs[index..], t);
      assert t[0..] == t;
      assert Find(t, "") == Some(0);
    }
  }

  // What finding, or not finding, a later segment says about the whole match.
  lemma {:induction false} SegmentStep(segs: seq<string>, index: nat, name: string, cursor: nat)
    requires |segs| >= 2 && 0 < index < |segs| && segs[index] != "" && cursor <= |name|
    ensures var t, seg := name[cursor..], segs[index];
            var found := Find(t, seg);
            && (found.None? ==> !Gapped(segs[index..], t))
            && (found.Some? ==> cursor + found.value + |seg| <= |name|)
            && (found.Some? && index < |segs| - 1 ==>
                  (Gapped(segs[index..], t) <==> Gapped(segs[index + 1..], name[cursor + found.value + |seg|..])))
            && (found.Some? && index == |segs| - 1 ==> (Gapped(segs[index..], t) <==> EndsWith(name, seg)))
  {
    hide Gapped, Find;
    var t, seg := name[cursor..], segs[index];
    var found := Find(t, seg);
    if index < |segs| - 1 {
      assert segs[index..][1..] == segs[index + 1..];
      LeftmostIsBest(segs[index..], t);
      if found.Some? {
        assert t[found.value + |seg|..] == name[cursor + found.value + |seg|..];
      }
    } else {
      LastSegment(segs[index..], t);
      if found.Some? {
        assert t[|t| - |seg|..] == name[|name| - |seg|..];
      }
    }
  }
}
