/** Case-insensitive substring matching, as the derived query
    "brand containing, ignoring case" performs it. Case folding is ASCII only. */
module Text {

  /** Folds one ASCII upper-case letter to lower case; other characters are kept. */
  function LowerChar(c: char): char {
    if 'A' <= c <= 'Z' then (c as int - 'A' as int + 'a' as int) as char else c
  }

  /** Folds every character of `s`. */
  function Lower(s: string): (r: string)
    ensures |r| == |s|
    ensures forall i :: 0 <= i < |s| ==> r[i] == LowerChar(s[i])
  {
    if s == [] then [] else [LowerChar(s[0])] + Lower(s[1..])
  }

  /** `sub` occurs in `s` starting at position `i`. */
  predicate OccursAt(s: string, sub: string, i: int) {
    0 <= i && i + |sub| <= |s| && s[i..i + |sub|] == sub
  }

  /** `sub` occurs in `s` starting at `i` once both are case-folded. */
  predicate OccursAtIgnoreCase(s: string, sub: string, i: int) {
    0 <= i && i + |sub| <= |s| &&
    forall k :: 0 <= k < |sub| ==> LowerChar(s[i + k]) == LowerChar(sub[k])
  }

  lemma OccursAtTail(s: string, sub: string, j: int)
    requires |s| > 0 && 0 <= j
    ensures OccursAt(s[1..], sub, j) <==> OccursAt(s, sub, j + 1)
  {
    if 0 <= j && j + |sub| <= |s| - 1 {
      assert s[1..][j..j + |sub|] == s[j + 1..j + 1 + |sub|];
    }
  }

  /** Whether `sub` is a substring of `s`. */
  function Contains(s: string, sub: string): (r: bool)
    ensures r <==> exists i :: OccursAt(s, sub, i)
    decreases |s|
  {
    if |sub| > |s| then
      false
    else if s[..|sub|] == sub then
      assert OccursAt(s, sub, 0);
      true
    else
      assert !OccursAt(s, sub, 0);
      var r := Contains(s[1..], sub);
      assert r ==> exists i :: OccursAt(s, sub, i) by {
        if r {
          var j :| OccursAt(s[1..], sub, j);
          OccursAtTail(s, sub, j);
        }
      }
      assert (exists i :: OccursAt(s, sub, i)) ==> r by {
        if exists i :: OccursAt(s, sub, i) {
          var i :| OccursAt(s, sub, i);
          OccursAtTail(s, sub, i - 1);
        }
      }
      r
  }

  lemma OccursAtLower(s: string, sub: string, i: int)
    ensures OccursAt(Lower(s), Lower(sub), i) <==> OccursAtIgnoreCase(s, sub, i)
  {
    var ls, lsub := Lower(s), Lower(sub);
    if 0 <= i && i + |sub| <= |s| {
      if OccursAt(ls, lsub, i) {
        forall k | 0 <= k < |sub| ensures LowerChar(s[i + k]) == LowerChar(sub[k]) {
          assert ls[i..i + |sub|][k] == ls[i + k];
        }
      }
      if OccursAtIgnoreCase(s, sub, i) {
        assert ls[i..i + |sub|] == lsub;
      }
    }
  }

  /** Whether `sub` occurs in `s` when upper and lower case letters are not told apart. */
  function ContainsIgnoreCase(s: string, sub: string): (r: bool)
    ensures r <==> exists i :: OccursAtIgnoreCase(s, sub, i)
  {
    var r := Contains(Lower(s), Lower(sub));
    assert r ==> exists i :: OccursAtIgnoreCase(s, sub, i) by {
      if r {
        var i :| OccursAt(Lower(s), Lower(sub), i);
        OccursAtLower(s, sub, i);
      }
    }
    assert (exists i :: OccursAtIgnoreCase(s, sub, i)) ==> r by {
      if exists i :: OccursAtIgnoreCase(s, sub, i) {
        var i :| OccursAtIgnoreCase(s, sub, i);
        OccursAtLower(s, sub, i);
      }
    }
    r
  }

  /** An empty filter string is contained in every brand. */
  lemma EmptyIsContained(s: string)
    ensures ContainsIgnoreCase(s, "")
  {
    assert OccursAtIgnoreCase(s, "", 0);
  }

  lemma LowerCharIdempotent(c: char)
    ensures LowerChar(LowerChar(c)) == LowerChar(c)
  {
  }

  lemma OccursAtIgnoreCaseOfLower(s: string, sub: string, i: int)
    ensures OccursAtIgnoreCase(Lower(s), sub, i) <==> OccursAtIgnoreCase(s, sub, i)
  {
    var ls := Lower(s);
    forall j | 0 <= j < |s|
      ensures LowerChar(ls[j]) == LowerChar(s[j])
    {
      LowerCharIdempotent(s[j]);
    }
  }

  /** Changing the case of the stored brand does not change the match. */
  lemma CaseOfSubjectIrrelevant(s: string, sub: string)
    ensures ContainsIgnoreCase(Lower(s), sub) == ContainsIgnoreCase(s, sub)
  {
    if ContainsIgnoreCase(Lower(s), sub) {
      var i :| OccursAtIgnoreCase(Lower(s), sub, i);
      OccursAtIgnoreCaseOfLower(s, sub, i);
    }
    if ContainsIgnoreCase(s, sub) {
      var i :| OccursAtIgnoreCase(s, sub, i);
      OccursAtIgnoreCaseOfLower(s, sub, i);
    }
  }
}
