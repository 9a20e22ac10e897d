/** The content transformation the three case-sensitivity scripts share: five
    literal global replacements, applied one after another, each guarded by a
    test on the content as the earlier ones left it, and a flag that records
    whether any guard held. */
module CaseRewrite {

  /** A search string; the scripts' patterns are never empty. */
  type Pattern = p: string | p != "" witness "?"

  /** `{ from, to }`: every occurrence of `from` becomes `to`. */
  datatype Replacement = Replacement(from: Pattern, to: string)

  /** The replacements, in the order the scripts apply them. */
  const REPLACEMENTS: seq<Replacement> := [
    Replacement("EXamples", "examples"),
    Replacement("/UI/", "/ui/"),
    Replacement("/Matter/", "/matter/"),
    Replacement("/M-Cards/", "/m-cards/"),
    Replacement("liquidcard.vue", "LiquidCard.vue")
  ]

  /** A replacement that changes what it matches. */
  predicate Changing(rep: Replacement)
  {
    rep.from != rep.to
  }

  predicate OccursAt(s: string, p: string, i: int)
  {
    0 <= i && i + |p| <= |s| && s[i..i + |p|] == p
  }

  /** `s.includes(p)`, and the truthiness of `s.match(/p/g)`. */
  predicate Contains(s: string, p: string)
  {
    exists i :: 0 <= i <= |s| - |p| && OccursAt(s, p, i)
  }

  /** `s.replace(/p/g, r)` for a pattern without special characters: scanning
      left to right, every occurrence that does not overlap an earlier
      replaced one becomes `r`. */
  function ReplaceAll(s: string, p: string, r: string): (t: string)
    requires p != ""
    ensures r == p ==> t == s
    ensures |r| == |p| ==> |t| == |s|
    ensures |s| < |p| ==> t == s
    decreases |s|
  {
    if |s| < |p| then s
    else if s[..|p|] == p then r + ReplaceAll(s[|p|..], p, r)
    else [s[0]] + ReplaceAll(s[1..], p, r)
  }

  /** An occurrence after the first character is an occurrence in the rest. */
  lemma ContainsTail(s: string, p: string)
    requires |s| >= 1 && Contains(s, p) && !OccursAt(s, p, 0)
    ensures Contains(s[1..], p)
  {
    var i :| 0 <= i <= |s| - |p| && OccursAt(s, p, i);
    assert i != 0;
    assert s[1..][i - 1..i - 1 + |p|] == s[i..i + |p|];
    assert OccursAt(s[1..], p, i - 1);
  }

  /** An occurrence in the rest is an occurrence in the whole. */
  lemma ContainsFromTail(s: string, p: string)
    requires |s| >= 1 && Contains(s[1..], p)
    ensures Contains(s, p)
  {
    var i :| 0 <= i <= |s[1..]| - |p| && OccursAt(s[1..], p, i);
    assert s[i + 1..i + 1 + |p|] == s[1..][i..i + |p|];
    assert OccursAt(s, p, i + 1);
  }

  /** A pattern that does not occur leaves the content as it was. */
  lemma {:induction false} ReplaceAllAbsent(s: string, p: string, r: string)
    requires p != "" && !Contains(s, p)
    ensures ReplaceAll(s, p, r) == s
    decreases |s|
  {
    if |s| >= |p| {
      assert !OccursAt(s, p, 0);
      if Contains(s[1..], p) {
        ContainsFromTail(s, p);
      }
      ReplaceAllAbsent(s[1..], p, r);
      assert s == [s[0]] + s[1..];
    }
  }

  /** Replacing with a longer text never shortens, with a shorter one never
      lengthens. */
  lemma {:induction false} ReplaceAllLength(s: string, p: string, r: string)
    requires p != ""
    ensures |r| >= |p| ==> |ReplaceAll(s, p, r)| >= |s|
    ensures |r| <= |p| ==> |ReplaceAll(s, p, r)| <= |s|
    decreases |s|
  {
    if |s| >= |p| {
      if s[..|p|] == p {
        ReplaceAllLength(s[|p|..], p, r);
      } else {
        ReplaceAllLength(s[1..], p, r);
      }
    }
  }

  /** A pattern that occurs changes the content, since it differs from its
      replacement. */
  lemma {:induction false} ReplaceAllChanges(s: string, p: string, r: string)
    requires p != "" && p != r && Contains(s, p)
    ensures ReplaceAll(s, p, r) != s
    decreases |s|
  {
    var i :| OccursAt(s, p, i);
    if s[..|p|] == p {
      var t := s[|p|..];
      ReplaceAllLength(t, p, r);
      assert s == p + t;
      if |r| == |p| {
        assert (r + ReplaceAll(t, p, r))[..|p|] == r;
      }
    } else {
      assert !OccursAt(s, p, 0);
      ContainsTail(s, p);
      ReplaceAllChanges(s[1..], p, r);
      assert ReplaceAll(s, p, r)[1..] == ReplaceAll(s[1..], p, r);
    }
  }

  /** One guarded step: `if (content matches from) content = content.replace(from, to)`. */
  function ApplyStep(content: string, rep: Replacement): string
  {
    if Contains(content, rep.from) then ReplaceAll(content, rep.from, rep.to) else content
  }

  /** The content after the replacements `reps`, in order, each on the output
      of the one before. */
  function Rewrite(content: string, reps: seq<Replacement>): string
  {
    if reps == [] then content
    else ApplyStep(Rewrite(content, reps[..|reps| - 1]), reps[|reps| - 1])
  }

  /** Whether some guard of `reps` held, each tested on the content the
      earlier steps produced. */
  function Matched(content: string, reps: seq<Replacement>): bool
  {
    if reps == [] then false
    else Matched(content, reps[..|reps| - 1])
         || Contains(Rewrite(content, reps[..|reps| - 1]), reps[|reps| - 1].from)
  }

  /** Extending the steps by one: the next step's guard is tested on what the
      steps so far produced. */
  lemma NextStep(content: string, reps: seq<Replacement>, k: int)
    requires 0 <= k < |reps|
    ensures Rewrite(content, reps[..k + 1]) == ApplyStep(Rewrite(content, reps[..k]), reps[k])
    ensures Matched(content, reps[..k + 1]) ==
              (Matched(content, reps[..k]) || Contains(Rewrite(content, reps[..k]), reps[k].from))
  {
    assert reps[..k + 1][..k] == reps[..k];
  }

  /** What `fixImports` computes from a file's text: the new text and the
      `modified` flag. */
  function FixContent(content: string): (string, bool)
  {
    (Rewrite(content, REPLACEMENTS), Matched(content, REPLACEMENTS))
  }

  /** The guard is only for the flag: an unguarded step gives the same text. */
  lemma GuardKeepsText(content: string, rep: Replacement)
    ensures ApplyStep(content, rep) == ReplaceAll(content, rep.from, rep.to)
  {
    if !Contains(content, rep.from) {
      ReplaceAllAbsent(content, rep.from, rep.to);
    }
  }

  /** The flag is set exactly when some step's guard held on the content as
      the steps before it left it. */
  lemma {:induction false} MatchedIffSomeGuard(content: string, reps: seq<Replacement>)
    ensures Matched(content, reps) <==> SomeGuard(content, reps, |reps|)
  {
    if reps != [] {
      var n := |reps| - 1;
      var pre := reps[..n];
      MatchedIffSomeGuard(content, pre);
      PrefixGuards(content, reps, n);
    }
  }

  /** Some step among the first `k` of `reps` found its pattern. */
  predicate SomeGuard(content: string, reps: seq<Replacement>, k: int)
    requires 0 <= k <= |reps|
  {
    exists j :: 0 <= j < k && Contains(Rewrite(content, reps[..j]), reps[j].from)
  }

  /** The guards of the first `n` steps are those of the prefix of length `n`. */
  lemma PrefixGuards(content: string, reps: seq<Replacement>, n: int)
    requires 0 <= n < |reps|
    ensures SomeGuard(content, reps[..n], n) <==> SomeGuard(content, reps, n)
    ensures SomeGuard(content, reps, n + 1) <==>
              SomeGuard(content, reps, n) || Contains(Rewrite(content, reps[..n]), reps[n].from)
  {
    var pre := reps[..n];
    forall j | 0 <= j < n
      ensures pre[..j] == reps[..j] && pre[j] == reps[j]
    {
    }
  }

  /** When no guard held, the text is returned as it was. */
  lemma {:induction false} UnmatchedUnchanged(content: string, reps: seq<Replacement>)
    requires !Matched(content, reps)
    ensures Rewrite(content, reps) == content
  {
    if reps != [] {
      UnmatchedUnchanged(content, reps[..|reps| - 1]);
    }
  }

  /** Content that holds none of the patterns is returned unchanged, and the
      flag stays false. */
  lemma {:induction false} NoPatternNoChange(content: string, reps: seq<Replacement>)
    requires forall k :: 0 <= k < |reps| ==> !Contains(content, reps[k].from)
    ensures Rewrite(content, reps) == content
    ensures !Matched(content, reps)
  {
    if reps != [] {
      NoPatternNoChange(content, reps[..|reps| - 1]);
    }
  }

  /** The first step whose guard holds does change the text it is given. */
  lemma FirstMatchChanges(content: string, reps: seq<Replacement>, j: int)
    requires forall k :: 0 <= k < |reps| ==> Changing(reps[k])
    requires 0 <= j < |reps| && Contains(Rewrite(content, reps[..j]), reps[j].from)
    ensures Rewrite(content, reps[..j + 1]) != Rewrite(content, reps[..j])
  {
    assert reps[..j + 1][..j] == reps[..j];
    ReplaceAllChanges(Rewrite(content, reps[..j]), reps[j].from, reps[j].to);
  }

  /** For the scripts' own list: an unflagged file keeps its text, and text
      with none of the five substrings comes back unchanged and unflagged. */
  lemma FixContentUnflagged(content: string)
    ensures !FixContent(content).1 ==> FixContent(content).0 == content
    ensures (forall k :: 0 <= k < |REPLACEMENTS| ==> !Contains(content, REPLACEMENTS[k].from))
              ==> FixContent(content) == (content, false)
  {
    if !FixContent(content).1 {
      UnmatchedUnchanged(content, REPLACEMENTS);
    }
    if forall k :: 0 <= k < |REPLACEMENTS| ==> !Contains(content, REPLACEMENTS[k].from) {
      NoPatternNoChange(content, REPLACEMENTS);
    }
  }
}
